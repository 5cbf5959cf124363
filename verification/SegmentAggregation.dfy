/** Document-level signals from section signals (processor/scientific_policy.py). */
module SegmentAggregation {
  import opened Outcomes
  import Ordering

  datatype Bucket = Head | Middle | Tail

  datatype SegmentScore = SegmentScore(
    segmentId: string,
    wordCount: nat,
    quality: Option<real>,
    perplexity: Option<real>,
    bucket: Option<Bucket>,
    included: bool)

  datatype Measured = Measured(value: real, bucket: Bucket, weight: nat)
  datatype Aggregate = Aggregate(quality: real, perplexity: real, bucket: Bucket)

  const MAX_SEGMENT_WEIGHT := 512

  function Weight(wordCount: nat): (w: nat)
    ensures 1 <= w <= MAX_SEGMENT_WEIGHT
  {
    if wordCount < 1 then 1 else if wordCount > MAX_SEGMENT_WEIGHT then MAX_SEGMENT_WEIGHT else wordCount
  }

  function QualityMeasured(scores: seq<SegmentScore>): seq<Measured> {
    if scores == [] then []
    else
      var rest := QualityMeasured(scores[1..]);
      if scores[0].included && scores[0].quality.Some? then
        [Measured(scores[0].quality.value, Middle, Weight(scores[0].wordCount))] + rest
      else rest
  }

  function PerplexityMeasured(scores: seq<SegmentScore>): seq<Measured> {
    if scores == [] then []
    else
      var rest := PerplexityMeasured(scores[1..]);
      if scores[0].included && scores[0].perplexity.Some? && scores[0].bucket.Some? then
        [Measured(scores[0].perplexity.value, scores[0].bucket.value, Weight(scores[0].wordCount))] + rest
      else rest
  }

  function Total(ms: seq<Measured>): nat {
    if ms == [] then 0 else ms[0].weight + Total(ms[1..])
  }

  function Scaled(value: real, weight: nat): real { value * weight as real }

  function WeightedSum(ms: seq<Measured>): real {
    if ms == [] then 0.0 else Scaled(ms[0].value, ms[0].weight) + WeightedSum(ms[1..])
  }

  function Mean(ms: seq<Measured>): real {
    if Total(ms) == 0 then 0.0 else WeightedSum(ms) / Total(ms) as real
  }

  predicate NotAbove(a: Measured, b: Measured) { a.value <= b.value }

  /** The first value at which the running weight reaches half of `total`. */
  function FirstReaching(ordered: seq<Measured>, running: nat, total: nat, otherwise: Measured): Measured {
    if ordered == [] then otherwise
    else if 2 * (running + ordered[0].weight) >= total then ordered[0]
    else FirstReaching(ordered[1..], running + ordered[0].weight, total, otherwise)
  }

  function Median(ms: seq<Measured>): Measured {
    if ms == [] then Measured(0.0, Middle, 0)
    else
      var ordered := Ordering.Sort(NotAbove, ms);
      Ordering.SortMultiset(NotAbove, ms);
      FirstReaching(ordered, 0, Total(ms), ordered[|ordered| - 1])
  }

  function AggregateOf(scores: seq<SegmentScore>): Aggregate {
    var median := Median(PerplexityMeasured(scores));
    Aggregate(Mean(QualityMeasured(scores)), median.value, median.bucket)
  }

  // ---- The weighted median -------------------------------------------------------------------

  function WeightBelow(ms: seq<Measured>, v: real): nat {
    if ms == [] then 0 else (if ms[0].value < v then ms[0].weight else 0) + WeightBelow(ms[1..], v)
  }

  function WeightUpTo(ms: seq<Measured>, v: real): nat {
    if ms == [] then 0 else (if ms[0].value <= v then ms[0].weight else 0) + WeightUpTo(ms[1..], v)
  }

  /** `m` was measured, at least half the weight is at or below it, and less than half is below it. */
  ghost predicate IsWeightedMedian(ms: seq<Measured>, m: Measured) {
    && m in ms
    && 2 * WeightUpTo(ms, m.value) >= Total(ms)
    && 2 * WeightBelow(ms, m.value) < Total(ms)
  }

  lemma {:induction false} InsertWeights(x: Measured, s: seq<Measured>, v: real)
    ensures var t := Ordering.Insert(NotAbove, x, s);
            && Total(t) == x.weight + Total(s)
            && WeightBelow(t, v) == WeightBelow([x], v) + WeightBelow(s, v)
            && WeightUpTo(t, v) == WeightUpTo([x], v) + WeightUpTo(s, v)
  {
    if s == [] || NotAbove(x, s[0]) {
      assert ([x] + s)[1..] == s && [x][1..] == [];
    } else {
      InsertWeights(x, s[1..], v);
      assert ([s[0]] + Ordering.Insert(NotAbove, x, s[1..]))[1..] == Ordering.Insert(NotAbove, x, s[1..]);
    }
  }

  lemma {:induction false} SortWeights(ms: seq<Measured>, v: real)
    ensures var t := Ordering.Sort(NotAbove, ms);
            && Total(t) == Total(ms)
            && WeightBelow(t, v) == WeightBelow(ms, v)
            && WeightUpTo(t, v) == WeightUpTo(ms, v)
  {
    if ms != [] {
      SortWeights(ms[1..], v);
      InsertWeights(ms[0], Ordering.Sort(NotAbove, ms[1..]), v);
      assert [ms[0]][1..] == [];
    }
  }

  lemma {:induction false} NothingBelow(ms: seq<Measured>, v: real)
    requires forall m | m in ms :: v <= m.value
    ensures WeightBelow(ms, v) == 0
  {
    if ms != [] {
      assert ms[0] in ms;
      NothingBelow(ms[1..], v);
    }
  }

  lemma {:induction false} WeightsSplit(a: seq<Measured>, b: seq<Measured>, v: real)
    ensures Total(a + b) == Total(a) + Total(b)
    ensures WeightBelow(a + b, v) == WeightBelow(a, v) + WeightBelow(b, v)
    ensures WeightUpTo(a + b, v) == WeightUpTo(a, v) + WeightUpTo(b, v)
    ensures WeightBelow(a, v) <= Total(a)
  {
    if a == [] {
      assert a + b == b;
    } else {
      assert (a + b)[1..] == a[1..] + b;
      WeightsSplit(a[1..], b, v);
    }
  }

  lemma {:induction false} AllUpTo(ms: seq<Measured>, v: real)
    requires forall m | m in ms :: m.value <= v
    ensures WeightUpTo(ms, v) == Total(ms)
  {
    if ms != [] {
      assert ms[0] in ms;
      AllUpTo(ms[1..], v);
    }
  }

  /** Where the scan of a sorted list stops: the prefix before it weighs under half, with it at least half. */
  lemma {:induction false} FirstReachingSplits(s: seq<Measured>, n: nat, total: nat, otherwise: Measured)
    requires n < |s| && total == Total(s) && 2 * Total(s[..n]) < total
    ensures exists k :: n <= k < |s| && FirstReaching(s[n..], Total(s[..n]), total, otherwise) == s[k]
                        && 2 * Total(s[..k]) < total && 2 * Total(s[..k + 1]) >= total
    decreases |s| - n
  {
    assert s[..n + 1] == s[..n] + [s[n]] && [s[n]][1..] == [];
    assert s[..|s|] == s;
    WeightsSplit(s[..n], [s[n]], 0.0);
    if 2 * Total(s[..n + 1]) < total {
      FirstReachingSplits(s, n + 1, total, otherwise);
      assert s[n..][1..] == s[n + 1..];
    }
  }

  /** In a sorted list, the element that crosses half of the weight is a weighted median. */
  lemma CrossingIsMedian(s: seq<Measured>, k: nat)
    requires Ordering.SortedBy(NotAbove, s) && k < |s|
    requires 2 * Total(s[..k]) < Total(s) && 2 * Total(s[..k + 1]) >= Total(s)
    ensures IsWeightedMedian(s, s[k])
  {
    var v := s[k].value;
    forall m | m in s[k..] ensures v <= m.value {
      assert forall j | k <= j < |s| :: NotAbove(s[k], s[j]);
    }
    forall m | m in s[..k + 1] ensures m.value <= v {
      assert forall j | 0 <= j <= k :: NotAbove(s[j], s[k]);
    }
    assert s == s[..k] + s[k..];
    WeightsSplit(s[..k], s[k..], v);
    NothingBelow(s[k..], v);
    assert s == s[..k + 1] + s[k + 1..];
    WeightsSplit(s[..k + 1], s[k + 1..], v);
    AllUpTo(s[..k + 1], v);
  }

  /** The reported perplexity is a true weighted median of the measured sections. */
  lemma MedianIsWeightedMedian(ms: seq<Measured>)
    requires ms != [] && forall m | m in ms :: m.weight >= 1
    ensures IsWeightedMedian(ms, Median(ms))
  {
    var s := Ordering.Sort(NotAbove, ms);
    Ordering.SortMultiset(NotAbove, ms);
    Ordering.SortSorted(NotAbove, ms);
    SortWeights(ms, 0.0);
    assert ms[0] in ms && s[..0] == [] && s[0..] == s;
    FirstReachingSplits(s, 0, Total(s), s[|s| - 1]);
    var k :| 0 <= k < |s| && Median(ms) == s[k] && 2 * Total(s[..k]) < Total(s) && 2 * Total(s[..k + 1]) >= Total(s);
    CrossingIsMedian(s, k);
    Ordering.SameElements(s, ms, s[k]);
    SortWeights(ms, s[k].value);
  }

  lemma {:induction false} MeasuredWeights(scores: seq<SegmentScore>)
    ensures forall m | m in PerplexityMeasured(scores) :: m.weight >= 1
    ensures forall m | m in QualityMeasured(scores) :: m.weight >= 1
  {
    if scores != [] {
      MeasuredWeights(scores[1..]);
    }
  }

  // ---- The weighted mean ---------------------------------------------------------------------

  ghost predicate Within(ms: seq<Measured>, lo: real, hi: real) {
    forall m | m in ms :: lo <= m.value <= hi
  }

  lemma ScaledMonotone(a: real, b: real, w: nat)
    requires a <= b
    ensures Scaled(a, w) <= Scaled(b, w)
  {
  }

  lemma ScaledAdds(a: real, w: nat, t: nat)
    ensures Scaled(a, w + t) == Scaled(a, w) + Scaled(a, t)
  {
  }

  lemma {:induction false} WeightedSumBounds(ms: seq<Measured>, lo: real, hi: real)
    requires Within(ms, lo, hi)
    ensures Scaled(lo, Total(ms)) <= WeightedSum(ms) <= Scaled(hi, Total(ms))
  {
    if ms != [] {
      var m, rest := ms[0], ms[1..];
      assert m in ms;
      WeightedSumBounds(rest, lo, hi);
      ScaledMonotone(lo, m.value, m.weight);
      ScaledMonotone(m.value, hi, m.weight);
      ScaledAdds(lo, m.weight, Total(rest));
      ScaledAdds(hi, m.weight, Total(rest));
      hide Scaled;
    }
  }

  lemma QuotientBetween(lo: real, hi: real, sum: real, t: nat)
    requires t > 0 && Scaled(lo, t) <= sum <= Scaled(hi, t)
    ensures lo <= sum / t as real <= hi
  {
    assert lo == Scaled(lo, t) / t as real && hi == Scaled(hi, t) / t as real;
  }

  /** The source quality of a document lies between its least and greatest measured section score. */
  lemma MeanBetween(ms: seq<Measured>, lo: real, hi: real)
    requires ms != [] && Within(ms, lo, hi) && forall m | m in ms :: m.weight >= 1
    ensures lo <= Mean(ms) <= hi
  {
    WeightedSumBounds(ms, lo, hi);
    assert ms[0] in ms;
    QuotientBetween(lo, hi, WeightedSum(ms), Total(ms));
  }

  // ---- What is measured, and how it weighs ---------------------------------------------------

  /** An included section with a signal counts with its words, at least one and at most 512. */
  lemma OneMeasured(s: SegmentScore)
    ensures var w := if s.wordCount == 0 then 1 else if s.wordCount <= 512 then s.wordCount else 512;
            && QualityMeasured([s]) == (if s.included && s.quality.Some? then [Measured(s.quality.value, Middle, w)] else [])
            && PerplexityMeasured([s]) == if s.included && s.perplexity.Some? && s.bucket.Some?
                                          then [Measured(s.perplexity.value, s.bucket.value, w)] else []
  {
    assert [s][1..] == [];
  }

  /** Sections are measured one by one, in order. */
  lemma {:induction false} MeasuredInOrder(a: seq<SegmentScore>, b: seq<SegmentScore>)
    ensures QualityMeasured(a + b) == QualityMeasured(a) + QualityMeasured(b)
    ensures PerplexityMeasured(a + b) == PerplexityMeasured(a) + PerplexityMeasured(b)
    decreases |a|
  {
    if a == [] {
      assert a + b == b;
    } else {
      assert (a + b)[1..] == a[1..] + b;
      MeasuredInOrder(a[1..], b);
    }
  }

  lemma {:induction false} SumsSplit(a: seq<Measured>, b: seq<Measured>)
    ensures Total(a + b) == Total(a) + Total(b) && WeightedSum(a + b) == WeightedSum(a) + WeightedSum(b)
  {
    if a == [] {
      assert a + b == b;
    } else {
      assert (a + b)[1..] == a[1..] + b;
      SumsSplit(a[1..], b);
    }
  }

  lemma DivideBack(x: real, d: real)
    requires d != 0.0
    ensures x / d * d == x && x * d / d == x
  {
  }

  /**
   The source quality is the weighted mean: one measurement has its own value, and the mean of two lists weighs
   their means by their total weights.
   */
  lemma MeanIsWeighted(m: Measured, a: seq<Measured>, b: seq<Measured>)
    ensures Mean([]) == 0.0 && Total([m]) == m.weight && (m.weight != 0 ==> Mean([m]) == m.value)
    ensures Total(a + b) == Total(a) + Total(b)
    ensures Total(a) != 0 && Total(b) != 0 ==>
              Mean(a + b) * Total(a + b) as real == Mean(a) * Total(a) as real + Mean(b) * Total(b) as real
  {
    SumsSplit(a, b);
    OneSum(m);
    hide Total, WeightedSum;
    if m.weight != 0 {
      DivideBack(m.value, m.weight as real);
    }
    if Total(a) != 0 && Total(b) != 0 {
      DivideBack(WeightedSum(a), Total(a) as real);
      DivideBack(WeightedSum(b), Total(b) as real);
      DivideBack(WeightedSum(a + b), Total(a + b) as real);
    }
  }

  lemma OneSum(m: Measured)
    ensures Total([]) == 0 && Total([m]) == m.weight && WeightedSum([m]) == m.value * m.weight as real
  {
    assert [m][1..] == [];
  }

  // ---- The loop ------------------------------------------------------------------------------

  /** The running-weight scan over the measured sections, ordered by perplexity. */
  method ScanForMedian(measured: seq<Measured>) returns (median: Measured)
    requires measured != []
    ensures median == Median(measured)
  {
    hide Total, Ordering.Sort;
    var total := Total(measured);
    var ordered := Ordering.Sort(NotAbove, measured);
    Ordering.SortMultiset(NotAbove, measured);
    median := ordered[|ordered| - 1];
    ghost var last := median;
    var running: nat := 0;
    var n := 0;
    while n < |ordered|
      invariant 0 <= n <= |ordered| && median == last
      invariant FirstReaching(ordered, 0, total, last) == FirstReaching(ordered[n..], running, total, last)
    {
      running := running + ordered[n].weight;
      assert ordered[n..][1..] == ordered[n + 1..];
      if 2 * running >= total {
        return ordered[n];
      }
      n := n + 1;
    }
  }

  lemma AggregateProperties(scores: seq<SegmentScore>)
    ensures var ms := PerplexityMeasured(scores); ms != [] ==> IsWeightedMedian(ms, Median(ms))
    ensures forall lo: real, hi: real | QualityMeasured(scores) != [] && Within(QualityMeasured(scores), lo, hi) ::
              lo <= Mean(QualityMeasured(scores)) <= hi
  {
    var ms, qs := PerplexityMeasured(scores), QualityMeasured(scores);
    MeasuredWeights(scores);
    if ms != [] {
      MedianIsWeightedMedian(ms);
    }
    forall lo: real, hi: real | qs != [] && Within(qs, lo, hi) ensures lo <= Mean(qs) <= hi {
      MeanBetween(qs, lo, hi);
    }
  }

  method AggregateSegmentScores(scores: seq<SegmentScore>)
    returns (quality: real, perplexity: real, bucket: Bucket)
    ensures Aggregate(quality, perplexity, bucket) == AggregateOf(scores)
    ensures var ms := PerplexityMeasured(scores);
            if ms == [] then perplexity == 0.0 && bucket == Middle
            else exists m :: IsWeightedMedian(ms, m) && m.value == perplexity && m.bucket == bucket
    ensures forall lo: real, hi: real | QualityMeasured(scores) != [] && Within(QualityMeasured(scores), lo, hi) ::
              lo <= quality <= hi
  {
    AggregateProperties(scores);
    quality := Mean(QualityMeasured(scores));
    var measured := PerplexityMeasured(scores);
    if measured == [] {
      return quality, 0.0, Middle;
    }
    var median := ScanForMedian(measured);
    return quality, median.value, median.bucket;
  }
}
