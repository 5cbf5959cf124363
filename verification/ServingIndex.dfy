/** The local serving database: two tables and the stored overview, changed in one transaction (processor/serving_index.py). */
module ServingIndex {
  import opened ServingProjection
  import opened ServingOverview
  import Ordering

  function MergedFor(into: map<string, nat>, counts: map<string, nat>, keys: set<string>): map<string, nat> {
    map k | k in into.Keys + keys :: Get(into, k) + if k in keys then Get(counts, k) else 0
  }

  lemma MergeOne(into: map<string, nat>, counts: map<string, nat>, keys: set<string>, k: string)
    requires k !in keys
    ensures var m := MergedFor(into, counts, keys);
            MergedFor(into, counts, keys + {k}) == m[k := Get(m, k) + Get(counts, k)]
  {
  }

  lemma MergeEnds(into: map<string, nat>, counts: map<string, nat>)
    ensures MergedFor(into, counts, {}) == into && MergedFor(into, counts, counts.Keys) == Added(into, counts)
  {
  }

  /** Merge per-source dictionaries the way the overview builds them. */
  method MergeCounts(into: map<string, nat>, counts: map<string, nat>) returns (merged: map<string, nat>)
    ensures merged == Added(into, counts)
  {
    hide MergedFor, Added;
    MergeEnds(into, counts);
    merged := into;
    var rest := counts.Keys;
    assert counts.Keys - rest == {};
    while rest != {}
      invariant rest <= counts.Keys && merged == MergedFor(into, counts, counts.Keys - rest)
      decreases |rest|
    {
      var k :| k in rest;
      MergeOne(into, counts, counts.Keys - rest, k);
      assert counts.Keys - (rest - {k}) == (counts.Keys - rest) + {k};
      rest := rest - {k};
      merged := merged[k := (if k in merged then merged[k] else 0) + counts[k]];
    }
    assert counts.Keys - {} == counts.Keys;
  }

  /** One entry per listed source. */
  method PerSource(sources: seq<string>, accepted: map<string, nat>, totals: map<string, nat>) returns (entries: seq<Entry>)
    requires forall s | s in sources :: s in totals
    ensures entries == Entries(sources, accepted, totals)
  {
    entries := [];
    for n := 0 to |sources|
      invariant |entries| == n
      invariant forall i | 0 <= i < n :: entries[i] == Entry(sources[i], Get(accepted, sources[i]), Get(totals, sources[i]))
    {
      entries := entries + [Entry(sources[n], if sources[n] in accepted then accepted[sources[n]] else 0, totals[sources[n]])];
    }
  }

  method CorpusOverview(table: seq<Decision>, admissions: seq<Admission>) returns (o: Overview)
    ensures o == OverviewOf(table, admissions)
  {
    hide OverallDecisions, EarlyLicense, GoldFeeds, DecisionFeeds, AdmissionFeeds, GroupCounts, SourcesOf, Added, Entries, DecisionReasons, AdmissionReasons;
    var decisions, early, gold := OverallDecisions(table), EarlyLicense(table, admissions), GoldFeeds(table);
    var decided, refused := DecisionFeeds(decisions), AdmissionFeeds(early);
    var totals := MergeCounts(GroupCounts(decided), GroupCounts(refused));
    var reasons := MergeCounts(GroupCounts(DecisionReasons(decisions)), GroupCounts(AdmissionReasons(early)));
    var sources := SourcesOf(decided + refused);
    forall s | s in sources ensures s in totals {
      SourceHasTotal(decided, refused, s);
    }
    var perSource := PerSource(sources, GroupCounts(gold), totals);
    o := Overview(|decisions| + |early|, |gold|, reasons, perSource);
  }

  lemma SourceHasTotal(decided: seq<string>, refused: seq<string>, source: string)
    requires source in SourcesOf(decided + refused)
    ensures source in Added(GroupCounts(decided), GroupCounts(refused))
  {
    SourcesListed(decided + refused);
  }

  class Index {
    var decisions: seq<Decision>
    var admissions: seq<Admission>
    var overview: Overview

    /** One row per key, and the stored overview is the one of the stored tables. */
    ghost predicate Valid()
      reads this
    {
      DistinctKeys(decisions) && DistinctIds(admissions) && overview == OverviewOf(decisions, admissions)
    }

    constructor ()
      ensures Valid() && decisions == [] && admissions == []
    {
      decisions, admissions := [], [];
      overview := OverviewOf([], []);
    }

    /** Collapse a poll to one row per scoring identity, the smallest trace winning. */
    method CollapseDecisions(records: seq<Decision>) returns (selected: seq<Decision>)
      ensures selected == Collapsed(records)
    {
      selected := [];
      for n := 0 to |records|
        invariant selected == Collapsed(records[..n])
      {
        assert records[..n + 1][..n] == records[..n];
        var at := IndexOf(selected, records[n].key);
        if at == |selected| {
          selected := selected + [records[n]];
        } else if Ordering.LexLess(records[n].trace, selected[at].trace) {
          selected := selected[at := records[n]];
        }
      }
      assert records[..|records|] == records;
    }

    method CollapseAdmissions(records: seq<Admission>) returns (selected: seq<Admission>)
      ensures selected == CollapsedLast(records)
    {
      selected := [];
      for n := 0 to |records|
        invariant selected == CollapsedLast(records[..n])
      {
        assert records[..n + 1][..n] == records[..n];
        var at := AdmissionIndex(selected, records[n].id);
        selected := if at == |selected| then selected + [records[n]] else selected[at := records[n]];
      }
      assert records[..|records|] == records;
    }

    /**
     One poll of decisions. The tables and the overview move together, or, when the database fails at any
     statement, not at all.
     */
    method ApplyDecisions(records: seq<Decision>, fails: bool) returns (committed: bool)
      requires Valid()
      modifies this
      ensures committed <==> records == [] || !fails
      ensures Valid() && admissions == old(admissions)
      ensures decisions == if committed then Applied(old(decisions), records) else old(decisions)
      ensures !committed ==> overview == old(overview)
    {
      if records == [] {
        return true;
      }
      var incoming := CollapseDecisions(records);
      ghost var before := decisions;
      CollapsedHoldsBest(records);
      var rollback := decisions;
      FilterDistinct((r: Decision) => !exists t | t in before :: t.key == r.key && AtMost(t.trace, r.trace), incoming);
      incoming := Surviving(decisions, incoming);
      ReplacedDistinct(before, incoming);
      decisions := Replaced(decisions, incoming);
      var refreshed := CorpusOverview(decisions, admissions);
      if fails {
        decisions := rollback;
        return false;
      }
      overview := refreshed;
      committed := true;
    }

    method ApplyAdmissions(records: seq<Admission>, fails: bool) returns (committed: bool)
      requires Valid()
      modifies this
      ensures committed <==> records == [] || !fails
      ensures Valid() && decisions == old(decisions)
      ensures admissions == if committed then AdmissionsApplied(old(admissions), records) else old(admissions)
      ensures !committed ==> overview == old(overview)
    {
      if records == [] {
        return true;
      }
      var incoming := CollapseAdmissions(records);
      var rollback := admissions;
      CollapsedHoldsLast(records);
      ReplacedAdmissionsDistinct(admissions, incoming);
      admissions := ReplacedAdmissions(admissions, incoming);
      var refreshed := CorpusOverview(decisions, admissions);
      if fails {
        admissions := rollback;
        return false;
      }
      overview := refreshed;
      committed := true;
    }

    /** What a reader of a valid index can rely on. */
    lemma StoredOverviewAddsUp()
      requires Valid()
      ensures overview.durableDecisions == TotalSum(overview.perSource)
      ensures overview.trainingDocuments == AcceptedSum(overview.perSource)
      ensures forall e | e in overview.perSource :: e.accepted <= e.total
    {
      OverviewAddsUp(decisions, admissions);
    }
  }

  lemma ReplacedAdmissionsDistinct(table: seq<Admission>, incoming: seq<Admission>)
    requires DistinctIds(table) && DistinctIds(incoming)
    ensures DistinctIds(ReplacedAdmissions(table, incoming))
  {
    var absent := (t: Admission) => !exists r | r in incoming :: r.id == t.id;
    FilterDistinctIds(absent, table);
    forall x, y | x in Ordering.Filter(absent, table) && y in incoming ensures x.id != y.id {
      Ordering.FilterElements(absent, table, x);
    }
  }
}
